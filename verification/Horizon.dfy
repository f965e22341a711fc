/** The horizon spectrum: which evaluated horizons are predictable, the gap-free run of them
    from the smallest evaluated horizon, and what remains outside that run. */
module Horizon {
  import opened Results

  datatype Regime = NoShift | ShiftCandidate

  datatype Point = Point(horizon: int, aMinus: real, gatesPass: bool, regime: Regime)

  predicate Admissible(p: Point) { p.aMinus > 0.0 && p.gatesPass }

  datatype Spectrum = Spectrum(hPred: seq<Point>, deltaCont: seq<Point>, rPred: seq<Point>)

  datatype HorizonError = NoPoints | NotAPartition

  // ----- ordering and filtering

  predicate Ordered(s: seq<Point>) {
    forall i, j | 0 <= i < j < |s| :: s[i].horizon <= s[j].horizon
  }

  predicate Increasing(s: seq<Point>) {
    forall i, j | 0 <= i < j < |s| :: s[i].horizon < s[j].horizon
  }

  /** Python's stable `sorted(points, key=horizon)`. */
  function ByHorizon(s: seq<Point>): seq<Point> {
    if s == [] then [] else InsertPoint(s[0], ByHorizon(s[1..]))
  }

  function InsertPoint(p: Point, s: seq<Point>): seq<Point> {
    if s == [] || p.horizon <= s[0].horizon then [p] + s else [s[0]] + InsertPoint(p, s[1..])
  }

  lemma {:induction false} InsertPointMembers(p: Point, s: seq<Point>)
    ensures multiset(InsertPoint(p, s)) == multiset(s) + multiset{p}
    ensures forall q | q in InsertPoint(p, s) :: q == p || q in s
  {
    if s != [] {
      assert s == [s[0]] + s[1..];
      if p.horizon > s[0].horizon { InsertPointMembers(p, s[1..]); }
    }
  }

  lemma {:induction false} InsertPointOrdered(p: Point, s: seq<Point>)
    requires Ordered(s)
    ensures Ordered(InsertPoint(p, s))
  {
    if s != [] {
      if p.horizon > s[0].horizon {
        InsertPointOrdered(p, s[1..]);
        InsertPointMembers(p, s[1..]);
        PrependOrdered(s[0], InsertPoint(p, s[1..]));
      } else {
        assert forall q | q in s :: s[0].horizon <= q.horizon;
        PrependOrdered(p, s);
      }
    }
  }

  lemma PrependOrdered(p: Point, s: seq<Point>)
    requires Ordered(s) && forall q | q in s :: p.horizon <= q.horizon
    ensures Ordered([p] + s)
  {
    assert forall j | 0 <= j < |s| :: s[j] in s;
  }

  lemma {:induction false} ByHorizonSorts(s: seq<Point>)
    ensures Ordered(ByHorizon(s))
    ensures multiset(ByHorizon(s)) == multiset(s)
  {
    if s != [] {
      ByHorizonSorts(s[1..]);
      InsertPointOrdered(s[0], ByHorizon(s[1..]));
      InsertPointMembers(s[0], ByHorizon(s[1..]));
      assert s == [s[0]] + s[1..];
    }
  }

  lemma SameLength(s: seq<Point>, t: seq<Point>)
    requires multiset(s) == multiset(t)
    ensures |s| == |t|
    ensures forall p :: p in s <==> p in t
  {
    assert |multiset(s)| == |s| && |multiset(t)| == |t|;
    forall p ensures p in s <==> p in t { assert p in multiset(s) <==> p in multiset(t); }
  }

  function AdmissibleOnly(s: seq<Point>): seq<Point> {
    if s == [] then [] else (if Admissible(s[0]) then [s[0]] else []) + AdmissibleOnly(s[1..])
  }

  lemma {:induction false} AdmissibleOnlyMembers(s: seq<Point>)
    ensures forall p :: p in AdmissibleOnly(s) <==> p in s && Admissible(p)
  {
    if s != [] {
      AdmissibleOnlyMembers(s[1..]);
      assert s == [s[0]] + s[1..];
    }
  }

  lemma {:induction false} AdmissibleOnlyIncreasing(s: seq<Point>)
    requires Increasing(s)
    ensures Increasing(AdmissibleOnly(s))
  {
    if s != [] {
      AdmissibleOnlyIncreasing(s[1..]);
      AdmissibleOnlyMembers(s[1..]);
      var rest := AdmissibleOnly(s[1..]);
      forall q | q in rest ensures s[0].horizon < q.horizon {
        var k :| 0 <= k < |s[1..]| && s[1..][k] == q;
        assert s[k + 1] == q;
      }
      assert forall j | 0 <= j < |rest| :: rest[j] in rest;
    }
  }

  lemma {:induction false} AdmissibleOnlyConcat(s: seq<Point>, t: seq<Point>)
    ensures AdmissibleOnly(s + t) == AdmissibleOnly(s) + AdmissibleOnly(t)
  {
    if s == [] {
      assert s + t == t;
    } else {
      assert (s + t)[1..] == s[1..] + t;
      AdmissibleOnlyConcat(s[1..], t);
    }
  }

  lemma {:induction false} AllAdmissible(s: seq<Point>)
    requires forall p | p in s :: Admissible(p)
    ensures AdmissibleOnly(s) == s
  {
    if s != [] {
      AllAdmissible(s[1..]);
      assert s == [s[0]] + s[1..];
    }
  }

  function Without(s: seq<Point>, taken: seq<Point>): seq<Point> {
    if s == [] then [] else (if s[0] !in taken then [s[0]] else []) + Without(s[1..], taken)
  }

  lemma {:induction false} WithoutMembers(s: seq<Point>, taken: seq<Point>)
    ensures forall p :: p in Without(s, taken) <==> p in s && p !in taken
    ensures |Without(s, taken)| <= |s|
    ensures |Without(s, taken)| == |s| <==> forall p | p in s :: p !in taken
  {
    if s != [] {
      WithoutMembers(s[1..], taken);
      assert s == [s[0]] + s[1..];
      assert (forall p | p in s :: p !in taken) <==> s[0] !in taken && forall p | p in s[1..] :: p !in taken;
    }
  }

  lemma {:induction false} WithoutConcat(s: seq<Point>, t: seq<Point>, taken: seq<Point>)
    ensures Without(s + t, taken) == Without(s, taken) + Without(t, taken)
  {
    if s == [] {
      assert s + t == t;
    } else {
      assert (s + t)[1..] == s[1..] + t;
      WithoutConcat(s[1..], t, taken);
    }
  }

  lemma {:induction false} WithoutAll(s: seq<Point>, taken: seq<Point>)
    requires forall p | p in s :: p in taken
    ensures Without(s, taken) == []
  {
    if s != [] { WithoutAll(s[1..], taken); }
  }

  // ----- the spectrum

  /** The first k points are admissible and sit at consecutive horizons. */
  predicate Run(ordered: seq<Point>, k: nat) {
    && k <= |ordered|
    && forall i | 0 <= i < k :: Admissible(ordered[i]) && ordered[i].horizon == ordered[0].horizon + i
  }

  /** The longest such run. */
  ghost predicate LongestRun(ordered: seq<Point>, k: nat) {
    && Run(ordered, k)
    && (k < |ordered| ==> !Admissible(ordered[k]) || ordered[k].horizon != ordered[0].horizon + k)
  }

  function Cut(ordered: seq<Point>, k: nat): (r: Result<Spectrum, HorizonError>)
    requires k <= |ordered|
  {
    var admissible, run := AdmissibleOnly(ordered), ordered[..k];
    var rest := Without(admissible, run);
    if |run| + |rest| != |admissible| then Err(NotAPartition) else Ok(Spectrum(admissible, run, rest))
  }

  /** Where the longest run ends, given that the first k points belong to it. */
  function RunEnd(ordered: seq<Point>, k: nat := 0): (end: nat)
    requires k <= |ordered|
    ensures k <= end <= |ordered|
    decreases |ordered| - k
  {
    if k < |ordered| && Admissible(ordered[k]) && ordered[k].horizon == ordered[0].horizon + k
    then RunEnd(ordered, k + 1)
    else k
  }

  lemma {:induction false} RunEndIsLongest(ordered: seq<Point>, k: nat)
    requires Run(ordered, k)
    ensures LongestRun(ordered, RunEnd(ordered, k))
    decreases |ordered| - k
  {
    if k < |ordered| && Admissible(ordered[k]) && ordered[k].horizon == ordered[0].horizon + k {
      RunEndIsLongest(ordered, k + 1);
    }
  }

  function SpectrumOf(points: seq<Point>): Result<Spectrum, HorizonError> {
    var ordered := ByHorizon(points);
    if points == [] then Err(NoPoints) else Cut(ordered, RunEnd(ordered))
  }

  /** The loop over the ordered points stops at the first one that is not the next admissible
      horizon. */
  method HorizonSpectrum(points: seq<Point>) returns (r: Result<Spectrum, HorizonError>)
    ensures r == SpectrumOf(points)
  {
    hide AdmissibleOnly, Without, ByHorizon, Ordered;
    if points == [] { return Err(NoPoints); }
    var ordered := ByHorizon(points);
    ByHorizonSorts(points);
    SameLength(ordered, points);
    var admissible := AdmissibleOnly(ordered);
    var prefix: seq<Point> := [];
    var expected := ordered[0].horizon;
    var k := 0;
    while k < |ordered|
      invariant 0 <= k <= |ordered| && prefix == ordered[..k]
      invariant expected == ordered[0].horizon + k
      invariant RunEnd(ordered, k) == RunEnd(ordered)
    {
      if Admissible(ordered[k]) && ordered[k].horizon == expected {
        prefix := prefix + [ordered[k]];
        expected := expected + 1;
      } else {
        break;
      }
      k := k + 1;
    }
    assert RunEnd(ordered) == k;
    var rest := Without(admissible, prefix);
    if |prefix| + |rest| != |admissible| { return Err(NotAPartition); }
    return Ok(Spectrum(admissible, prefix, rest));
  }

  // ----- what the spectrum means

  predicate DistinctHorizons(points: seq<Point>) {
    forall i, j | 0 <= i < j < |points| :: points[i].horizon != points[j].horizon
  }

  lemma DistinctAfterSort(points: seq<Point>)
    requires DistinctHorizons(points)
    ensures Increasing(ByHorizon(points))
  {
    var ordered := ByHorizon(points);
    ByHorizonSorts(points);
    forall i, j | 0 <= i < j < |ordered| ensures ordered[i].horizon < ordered[j].horizon {
      if ordered[i].horizon == ordered[j].horizon {
        SharedHorizon(points, ordered, i, j);
      }
    }
  }

  lemma SharedHorizon(points: seq<Point>, ordered: seq<Point>, i: nat, j: nat)
    requires multiset(points) == multiset(ordered)
    requires i < j < |ordered| && ordered[i].horizon == ordered[j].horizon
    ensures !DistinctHorizons(points)
  {
    SameLength(points, ordered);
    assert ordered[i] in ordered && ordered[j] in ordered;
    var a :| 0 <= a < |points| && points[a] == ordered[i];
    var b :| 0 <= b < |points| && points[b] == ordered[j];
    if a == b {
      var c := OtherCopy(ordered, i, j, points, a);
    }
  }

  lemma OtherCopy(ordered: seq<Point>, i: nat, j: nat, points: seq<Point>, a: nat) returns (c: nat)
    requires multiset(points) == multiset(ordered)
    requires i < j < |ordered| && a < |points| && ordered[i] == ordered[j] == points[a]
    ensures c < |points| && c != a && points[c] == points[a]
  {
    var p := points[a];
    assert ordered == ordered[..j] + [ordered[j]] + ordered[j + 1..];
    assert ordered[..j][i] == p;
    assert multiset(ordered)[p] >= 2;
    assert points == points[..a] + [p] + points[a + 1..];
    var others := points[..a] + points[a + 1..];
    assert multiset(points) == multiset(others) + multiset{p};
    assert p in others;
    var k :| 0 <= k < |others| && others[k] == p;
    c := if k < a then k else k + 1;
  }

  predicate At(points: seq<Point>, h: int) { exists p :: p in points && Admissible(p) && p.horizon == h }

  /** The run holds exactly the admissible points at consecutive horizons from h0 up to the
      first gap. */
  ghost predicate GapFreeFrom(points: seq<Point>, run: seq<Point>, h0: int) {
    && (forall i | 0 <= i < |run| :: run[i] in points && Admissible(run[i]) && run[i].horizon == h0 + i)
    && !At(points, h0 + |run|)
  }

  ghost predicate Smallest(points: seq<Point>, h0: int) {
    && (exists p :: p in points && p.horizon == h0)
    && (forall p | p in points :: h0 <= p.horizon)
  }

  /** The predictable horizons are the admissible points in increasing order; the continuous
      run is gap-free and maximal from h0; the rest is every other admissible point. */
  ghost predicate Describes(s: Spectrum, points: seq<Point>, h0: int) {
    && Increasing(s.hPred)
    && (forall p :: p in s.hPred <==> p in points && Admissible(p))
    && GapFreeFrom(points, s.deltaCont, h0)
    && (forall p :: p in s.rPred <==> p in s.hPred && p !in s.deltaCont)
  }

  /** For points with distinct horizons, given in any order, the check never fails and the
      spectrum describes the points from the smallest evaluated horizon. */
  lemma SpectrumOfDistinctHorizons(points: seq<Point>, h0: int)
    requires points != [] && DistinctHorizons(points) && Smallest(points, h0)
    ensures SpectrumOf(points).Ok? && Describes(SpectrumOf(points).value, points, h0)
  {
    var ordered := ByHorizon(points);
    ByHorizonSorts(points);
    SameLength(ordered, points);
    DistinctAfterSort(points);
    RunEndIsLongest(ordered, 0);
    SmallestIsFirst(points, ordered, h0);
    CutDescribes(ordered, RunEnd(ordered), h0);
    SameMembersSameSpectrum(SpectrumOf(points).value, ordered, points, h0);
  }

  lemma SameMembersSameSpectrum(s: Spectrum, ordered: seq<Point>, points: seq<Point>, h0: int)
    requires Describes(s, ordered, h0) && forall p :: p in ordered <==> p in points
    ensures Describes(s, points, h0)
  {
    if p :| p in points && Admissible(p) && p.horizon == h0 + |s.deltaCont| {
      assert p in ordered;
    }
  }

  lemma CutDescribes(ordered: seq<Point>, k: nat, h0: int)
    requires ordered != [] && ordered[0].horizon == h0
    requires Increasing(ordered) && LongestRun(ordered, k)
    ensures Cut(ordered, k).Ok? && Describes(Cut(ordered, k).value, ordered, h0)
  {
    IncreasingHasNoCopies(ordered, k);
    CutIff(ordered, k);
    AdmissibleOnlyMembers(ordered);
    AdmissibleOnlyIncreasing(ordered);
    WithoutMembers(AdmissibleOnly(ordered), ordered[..k]);
    RunIsGapFree(ordered, k, h0);
  }

  lemma IncreasingHasNoCopies(ordered: seq<Point>, k: nat)
    requires Increasing(ordered) && k <= |ordered|
    ensures forall p | p in ordered[k..] :: p !in ordered[..k]
  {
    var run, tail := ordered[..k], ordered[k..];
    forall p | p in tail ensures p !in run {
      var j :| 0 <= j < |tail| && tail[j] == p;
      assert ordered[k + j] == p;
    }
  }

  lemma SmallestIsFirst(points: seq<Point>, ordered: seq<Point>, h0: int)
    requires Smallest(points, h0) && Ordered(ordered) && ordered != []
    requires forall p :: p in ordered <==> p in points
    ensures ordered[0].horizon == h0
  {
    var p0 :| p0 in points && p0.horizon == h0;
    assert p0 in ordered && ordered[0] in points;
    assert ordered[0].horizon <= p0.horizon;
  }

  lemma RunIsGapFree(ordered: seq<Point>, k: nat, h0: int)
    requires ordered != [] && ordered[0].horizon == h0
    requires Increasing(ordered) && LongestRun(ordered, k)
    ensures GapFreeFrom(ordered, ordered[..k], h0)
  {
    assert forall i | 0 <= i < k :: ordered[..k][i] in ordered;
    forall i | 0 <= i < |ordered| ensures !Admissible(ordered[i]) || ordered[i].horizon != h0 + k {
      if i > k {
        assert ordered[k].horizon < ordered[i].horizon;
        assert k > 0 ==> ordered[k - 1].horizon < ordered[k].horizon;
      }
    }
  }

  lemma RunIsFiltered(ordered: seq<Point>, k: nat)
    requires Run(ordered, k)
    ensures AdmissibleOnly(ordered) == ordered[..k] + AdmissibleOnly(ordered[k..])
    ensures Without(AdmissibleOnly(ordered), ordered[..k]) == Without(AdmissibleOnly(ordered[k..]), ordered[..k])
  {
    var run, tail := ordered[..k], ordered[k..];
    assert ordered == run + tail;
    AdmissibleOnlyConcat(run, tail);
    AllAdmissible(run);
    WithoutConcat(run, AdmissibleOnly(tail), run);
    WithoutAll(run, run);
  }

  lemma CutIff(ordered: seq<Point>, k: nat)
    requires Run(ordered, k)
    ensures Cut(ordered, k).Ok? <==> forall p | p in ordered[k..] :: p !in ordered[..k]
  {
    RunIsFiltered(ordered, k);
    WithoutMembers(AdmissibleOnly(ordered[k..]), ordered[..k]);
    AdmissibleOnlyMembers(ordered[k..]);
    assert forall p | p in ordered[..k] :: Admissible(p);
  }

  // ----- points given in any order, with any repetition

  /** The points evaluated at a horizon, in the order given. */
  function AtHorizon(s: seq<Point>, h: int): seq<Point> {
    if s == [] then [] else (if s[0].horizon == h then [s[0]] else []) + AtHorizon(s[1..], h)
  }

  /** Ordered by horizon, with the points of each horizon in the order given. */
  ghost predicate StablyOrders(ordered: seq<Point>, points: seq<Point>) {
    Ordered(ordered) && forall h :: AtHorizon(ordered, h) == AtHorizon(points, h)
  }

  lemma {:induction false} InsertPointAt(p: Point, s: seq<Point>, h: int)
    ensures AtHorizon(InsertPoint(p, s), h) == (if p.horizon == h then [p] else []) + AtHorizon(s, h)
  {
    if s == [] || p.horizon <= s[0].horizon {
      AtHorizonCons(p, s, h);
    } else {
      InsertPointAt(p, s[1..], h);
      var inserted := InsertPoint(p, s[1..]);
      assert InsertPoint(p, s) == [s[0]] + inserted;
      hide InsertPoint;
      AtHorizonCons(s[0], inserted, h);
    }
  }

  lemma AtHorizonCons(p: Point, s: seq<Point>, h: int)
    ensures AtHorizon([p] + s, h) == (if p.horizon == h then [p] else []) + AtHorizon(s, h)
  {
    assert ([p] + s)[1..] == s;
  }

  lemma {:induction false} ByHorizonAt(s: seq<Point>, h: int)
    ensures AtHorizon(ByHorizon(s), h) == AtHorizon(s, h)
  {
    if s != [] {
      ByHorizonAt(s[1..], h);
      InsertPointAt(s[0], ByHorizon(s[1..]), h);
    }
  }

  lemma {:induction false} AtHorizonMembers(s: seq<Point>, h: int)
    ensures forall p :: p in AtHorizon(s, h) <==> p in s && p.horizon == h
  {
    if s != [] {
      AtHorizonMembers(s[1..], h);
      assert s == [s[0]] + s[1..];
    }
  }

  /** There is one stable order. */
  lemma {:induction false} StableIsUnique(s: seq<Point>, t: seq<Point>)
    requires Ordered(s) && Ordered(t) && forall h :: AtHorizon(s, h) == AtHorizon(t, h)
    ensures s == t
  {
    EmptyTogether(s, t);
    EmptyTogether(t, s);
    if s != [] {
      StableHeads(s, t);
      assert s == [s[0]] + s[1..] && t == [t[0]] + t[1..];
      forall h ensures AtHorizon(s[1..], h) == AtHorizon(t[1..], h) {
        var here := if s[0].horizon == h then [s[0]] else [];
        assert AtHorizon(s, h) == here + AtHorizon(s[1..], h) && AtHorizon(t, h) == here + AtHorizon(t[1..], h);
        assert AtHorizon(s, h)[|here|..] == AtHorizon(t, h)[|here|..];
      }
      StableIsUnique(s[1..], t[1..]);
    }
  }

  lemma EmptyTogether(s: seq<Point>, t: seq<Point>)
    requires forall h :: AtHorizon(s, h) == AtHorizon(t, h)
    ensures t != [] ==> s != []
  {
    if t != [] {
      var h := t[0].horizon;
      AtHorizonMembers(s, h);
      AtHorizonMembers(t, h);
      assert AtHorizon(s, h) == AtHorizon(t, h);
      assert t[0] in AtHorizon(s, h);
    }
  }

  lemma StableHeads(s: seq<Point>, t: seq<Point>)
    requires s != [] && Ordered(s) && Ordered(t) && forall h :: AtHorizon(s, h) == AtHorizon(t, h)
    ensures t != [] && s[0] == t[0]
  {
    var h := s[0].horizon;
    AtHorizonMembers(s, h);
    AtHorizonMembers(t, h);
    assert s[0] in AtHorizon(t, h);
    var g := t[0].horizon;
    AtHorizonMembers(s, g);
    AtHorizonMembers(t, g);
    assert t[0] in AtHorizon(s, g);
    assert AtHorizon(s, h)[0] == s[0] && AtHorizon(t, g)[0] == t[0];
  }

  lemma LongestIsUnique(ordered: seq<Point>, j: nat, k: nat)
    requires LongestRun(ordered, j) && LongestRun(ordered, k)
    ensures j == k
  {
  }

  lemma OrderAndRun(points: seq<Point>, ordered: seq<Point>, k: nat)
    requires StablyOrders(ordered, points) && LongestRun(ordered, k)
    ensures ordered == ByHorizon(points) && k == RunEnd(ordered) && multiset(ordered) == multiset(points)
  {
    ByHorizonSorts(points);
    forall h ensures AtHorizon(ordered, h) == AtHorizon(ByHorizon(points), h) { ByHorizonAt(points, h); }
    StableIsUnique(ordered, ByHorizon(points));
    RunEndIsLongest(ordered, 0);
    LongestIsUnique(ordered, k, RunEnd(ordered));
  }

  lemma HasOrderAndRun(points: seq<Point>) returns (ordered: seq<Point>, k: nat)
    ensures StablyOrders(ordered, points) && LongestRun(ordered, k)
  {
    ordered := ByHorizon(points);
    ByHorizonSorts(points);
    forall h ensures AtHorizon(ordered, h) == AtHorizon(points, h) { ByHorizonAt(points, h); }
    k := RunEnd(ordered);
    RunEndIsLongest(ordered, 0);
  }

  /** For every input: put the points in stable order and take the longest run of consecutive
      admissible horizons at its front. The partition check fails exactly when the point that closes
      that run was evaluated more than once. */
  lemma PartitionFailsIffRepeated(points: seq<Point>, ordered: seq<Point>, k: nat)
    requires StablyOrders(ordered, points) && LongestRun(ordered, k)
    ensures SpectrumOf(points) == Err(NoPoints) <==> points == []
    ensures SpectrumOf(points) == Err(NotAPartition)
       <==> points != [] && k > 0 && multiset(points)[ordered[k - 1]] > 1
  {
    hide Ordered, ByHorizon, AdmissibleOnly, Without, RunEnd, StablyOrders;
    OrderAndRun(points, ordered, k);
    ByHorizonSorts(points);
    CutIff(ordered, k);
    if k > 0 {
      CopiesOfLast(ordered, k);
      OnlyLastReappears(ordered, k);
    }
  }

  /** And when it does not fail, the spectrum is a partition in the strongest sense: that run followed
      by the rest is the predictable horizons, which are the admissible points, each as often as it was
      given, in stable order. */
  lemma SpectrumIsPartition(points: seq<Point>, ordered: seq<Point>, k: nat, p: Point)
    requires SpectrumOf(points).Ok? && StablyOrders(ordered, points) && LongestRun(ordered, k)
    ensures var s := SpectrumOf(points).value;
            && s.deltaCont == ordered[..k] && s.hPred == s.deltaCont + s.rPred
            && s.hPred == AdmissibleOnly(ordered)
            && multiset(s.hPred)[p] == if Admissible(p) then multiset(points)[p] else 0
  {
    hide Ordered, ByHorizon, RunEnd, StablyOrders;
    OrderAndRun(points, ordered, k);
    RunIsFiltered(ordered, k);
    CutIff(ordered, k);
    AdmissibleOnlyMembers(ordered[k..]);
    WithoutNone(AdmissibleOnly(ordered[k..]), ordered[..k]);
    AdmissibleOnlyCounts(ordered, p);
  }

  lemma {:induction false} WithoutNone(s: seq<Point>, taken: seq<Point>)
    requires forall p | p in s :: p !in taken
    ensures Without(s, taken) == s
  {
    if s != [] {
      WithoutNone(s[1..], taken);
      assert s == [s[0]] + s[1..];
    }
  }

  lemma {:induction false} AdmissibleOnlyCounts(s: seq<Point>, p: Point)
    ensures multiset(AdmissibleOnly(s))[p] == if Admissible(p) then multiset(s)[p] else 0
  {
    if s != [] {
      AdmissibleOnlyCounts(s[1..], p);
      assert s == [s[0]] + s[1..];
    }
  }

  /** The smallest failing input: an admissible point evaluated twice. */
  lemma RepeatedPointFails(p: Point)
    requires Admissible(p)
    ensures SpectrumOf([p, p]) == Err(NotAPartition)
  {
    var none: seq<Point> := [];
    assert [p][1..] == none && ByHorizon(none) == none;
    assert ByHorizon([p]) == InsertPoint(p, none) == [p];
    assert [p, p][1..] == [p];
    assert ByHorizon([p, p]) == InsertPoint(p, [p]) == [p, p];
    var ordered, k := HasOrderAndRun([p, p]);
    OrderAndRun([p, p], ordered, k);
    assert RunEnd([p, p], 1) == 1;
    PartitionFailsIffRepeated([p, p], ordered, k);
  }

  lemma CopiesOfLast(ordered: seq<Point>, k: nat)
    requires 0 < k && Run(ordered, k)
    ensures multiset(ordered)[ordered[k - 1]] > 1 <==> ordered[k - 1] in ordered[k..]
  {
    var last, init, tail := ordered[k - 1], ordered[..k - 1], ordered[k..];
    assert ordered == init + [last] + tail;
    forall i | 0 <= i < |init| ensures init[i] != last { assert init[i] == ordered[i]; }
    assert multiset(init)[last] == 0;
    assert multiset(ordered)[last] == multiset(init)[last] + 1 + multiset(tail)[last];
  }

  lemma OnlyLastReappears(ordered: seq<Point>, k: nat)
    requires 0 < k && Run(ordered, k) && Ordered(ordered)
    ensures forall p | p in ordered[k..] && p in ordered[..k] :: p == ordered[k - 1]
    ensures ordered[k - 1] in ordered[..k]
  {
    var run, tail := ordered[..k], ordered[k..];
    forall p | p in tail && p in run ensures p == ordered[k - 1] {
      var i :| 0 <= i < k && ordered[i] == p;
      var j :| 0 <= j < |tail| && tail[j] == p;
      assert ordered[k + j] == p;
      assert ordered[k - 1].horizon <= ordered[k + j].horizon;
    }
    assert run[k - 1] == ordered[k - 1];
  }
}
