/** The quantitative power gate: interpolated quantiles, the circular block bootstrap of the
    mean gain, and the permutation placebo. The random generator is the sequence of draws it
    hands out, so every statement here holds of every generator. */
module Power {
  import opened Results
  import opened Sums
  import opened Estimator
  import opened Sorting

  datatype PowerError = EmptySample | TooFewGains | NoBlindPairs

  function AtMost(x: real, y: real): bool { x <= y }

  // ----- quantiles

  /** Linear interpolation of a non-empty sorted sample at level q. */
  function Quantile(sorted: seq<real>, q: real): real
    requires sorted != [] && 0.0 <= q <= 1.0
  {
    At(sorted, Position(q, |sorted| - 1))
  }

  function Position(q: real, last: nat): (pos: real)
    requires 0.0 <= q <= 1.0
    ensures 0.0 <= pos <= last as real
  {
    Scaled(q, last as real);
    q * (last as real)
  }

  function At(sorted: seq<real>, pos: real): real
    requires 0.0 <= pos <= (|sorted| - 1) as real
  {
    var low := pos.Floor;
    var high := if low + 1 < |sorted| - 1 then low + 1 else |sorted| - 1;
    Mix(sorted[low], sorted[high], pos - low as real)
  }

  function Mix(x: real, y: real, f: real): real { x * (1.0 - f) + y * f }

  lemma Scaled(q: real, n: real)
    requires 0.0 <= q <= 1.0 && n >= 0.0
    ensures 0.0 <= q * n <= n
  {
  }

  lemma PositionMonotone(q: real, q': real, last: nat)
    requires 0.0 <= q <= q' <= 1.0
    ensures Position(q, last) <= Position(q', last)
  {
    Scaled(q' - q, last as real);
    assert (q' - q) * (last as real) == q' * (last as real) - q * (last as real);
  }

  lemma MixBetween(x: real, y: real, f: real)
    requires x <= y && 0.0 <= f <= 1.0
    ensures x <= Mix(x, y, f) <= y
  {
    assert Mix(x, y, f) == x + (y - x) * f;
    Scaled(f, y - x);
    assert (y - x) * f == f * (y - x);
  }

  lemma MixMonotone(x: real, y: real, f: real, g: real)
    requires x <= y && f <= g
    ensures Mix(x, y, f) <= Mix(x, y, g)
  {
    var d, h := y - x, g - f;
    assert d * h >= 0.0;
    assert Mix(x, y, g) == Mix(x, y, f) + d * h;
  }

  lemma AtMonotone(s: seq<real>, p: real, r: real)
    requires SortedBy(AtMost, s)
    requires 0.0 <= p <= r <= (|s| - 1) as real
    ensures At(s, p) <= At(s, r)
    ensures s[0] <= At(s, p) && At(s, r) <= s[|s| - 1]
  {
    var i, j := p.Floor, r.Floor;
    var n := |s| - 1;
    var i', j' := if i + 1 < n then i + 1 else n, if j + 1 < n then j + 1 else n;
    assert s[0] <= s[i] <= s[i'] <= s[n] by { Ascending(s, 0, i); Ascending(s, i, i'); Ascending(s, i', n); }
    assert s[j] <= s[j'] <= s[n] by { Ascending(s, j, j'); Ascending(s, j', n); }
    MixBetween(s[i], s[i'], p - i as real);
    MixBetween(s[j], s[j'], r - j as real);
    if i == j {
      MixMonotone(s[i], s[i'], p - i as real, r - i as real);
    } else {
      Ascending(s, i', j);
    }
  }

  lemma Ascending(s: seq<real>, i: nat, j: nat)
    requires SortedBy(AtMost, s) && i <= j < |s|
    ensures s[i] <= s[j]
  {
    if i < j { assert AtMost(s[i], s[j]); }
  }

  /** The interpolated quantile never decreases in its level and never leaves the sample. */
  lemma QuantileMonotone(s: seq<real>, q: real, q': real)
    requires s != [] && SortedBy(AtMost, s) && 0.0 <= q <= q' <= 1.0
    ensures s[0] <= Quantile(s, q) <= Quantile(s, q') <= s[|s| - 1]
  {
    PositionMonotone(q, q', |s| - 1);
    AtMonotone(s, Position(q, |s| - 1), Position(q', |s| - 1));
  }

  /** At level k/(n-1) the quantile is the k-th order statistic itself. */
  lemma QuantileAtKnots(s: seq<real>, k: nat)
    requires |s| >= 2 && k < |s|
    ensures var q := (k as real) / ((|s| - 1) as real);
            0.0 <= q <= 1.0 && Quantile(s, q) == s[k]
  {
    QuotientInUnit(k as real, (|s| - 1) as real);
    var pos := Position((k as real) / ((|s| - 1) as real), |s| - 1);
    assert pos == k as real by { QuotientTimes(k as real, (|s| - 1) as real); }
    AtKnot(s, k);
  }

  lemma AtKnot(s: seq<real>, k: nat)
    requires k < |s|
    ensures At(s, k as real) == s[k]
  {
    assert (k as real).Floor == k;
    MixAtZero(s[k], if k + 1 < |s| - 1 then s[k + 1] else s[|s| - 1]);
  }

  /** x is the value of the sample at position level (n - 1), on the straight line between the two
      neighbours of that position. */
  ghost predicate Interpolates(m: seq<real>, level: real, x: real) {
    && m != [] && (|m| == 1 ==> x == m[0])
    && var position := level * ((|m| - 1) as real);
       forall k | 0 <= k < |m| - 1 && k as real <= position <= (k + 1) as real ::
         x == m[k] + (position - k as real) * (m[k + 1] - m[k])
  }

  /** Between two knots the quantile runs straight from one order statistic to the next. */
  lemma QuantileInterpolates(s: seq<real>, q: real)
    requires s != [] && 0.0 <= q <= 1.0
    ensures Interpolates(s, q, Quantile(s, q))
  {
    var position := Position(q, |s| - 1);
    assert position == q * ((|s| - 1) as real) && Quantile(s, q) == At(s, position);
    hide Position, At, Quantile;
    if |s| == 1 {
      assert position == 0 as real;
      AtKnot(s, 0);
    }
    forall k | 0 <= k < |s| - 1 && k as real <= position <= (k + 1) as real
      ensures At(s, position) == s[k] + (position - k as real) * (s[k + 1] - s[k])
    {
      AtIsLine(s, position, k);
    }
  }

  lemma AtIsLine(s: seq<real>, position: real, k: nat)
    requires k < |s| - 1 && k as real <= position <= (k + 1) as real
    ensures At(s, position) == s[k] + (position - k as real) * (s[k + 1] - s[k])
  {
    if position == (k + 1) as real {
      AtKnot(s, k + 1);
    } else {
      assert position.Floor == k;
      hide Mix;
      MixIsLine(s[k], s[k + 1], position - k as real);
    }
  }

  lemma MixIsLine(x: real, y: real, f: real)
    ensures Mix(x, y, f) == x + f * (y - x)
  {
  }

  lemma QuotientInUnit(x: real, n: real)
    requires 0.0 <= x <= n && n > 0.0
    ensures 0.0 <= x / n <= 1.0
  {
  }

  lemma MixAtZero(x: real, y: real)
    ensures Mix(x, y, 0.0) == x
  {
  }

  // ----- the circular block bootstrap

  /** A run of blockLength gains from `start`, wrapping at the end. */
  function Block(gains: seq<real>, start: nat, blockLength: nat): (b: seq<real>)
    requires gains != []
    ensures |b| == blockLength
    ensures forall i | 0 <= i < blockLength :: b[i] == gains[(start + i) % |gains|]
  {
    seq(blockLength, i requires 0 <= i < blockLength => gains[(start + i) % |gains|])
  }

  function Blocks(gains: seq<real>, starts: seq<nat>, blockLength: nat): seq<real>
    requires gains != []
  {
    if starts == [] then [] else
    Blocks(gains, starts[..|starts| - 1], blockLength) + Block(gains, starts[|starts| - 1], blockLength)
  }

  /** The blocks of one replicate always reach n samples, and one block fewer would not. */
  lemma BlocksSuffice(n: nat, blockLength: nat)
    requires blockLength >= 1
    ensures var m: int := n;
            var count := -((-m) / blockLength);
            && count >= 0
            && count * blockLength >= n
            && (n > 0 ==> (count - 1) * blockLength < n)
  {
    var m: int := n;
    var d := (-m) / blockLength;
    assert -m == d * blockLength + (-m) % blockLength;
    assert (-d) * blockLength == m + (-m) % blockLength;
    assert (-d - 1) * blockLength == (-d) * blockLength - blockLength;
  }

  /** How many blocks one replicate draws: n / blockLength, rounded up. */
  function BlockCount(n: nat, blockLength: nat): nat
    requires blockLength >= 1
  {
    var m: int := n;
    BlocksSuffice(n, blockLength);
    -((-m) / blockLength)
  }

  lemma {:induction false} BlocksDrawFromGains(gains: seq<real>, starts: seq<nat>, blockLength: nat)
    requires gains != []
    ensures |Blocks(gains, starts, blockLength)| == |starts| * blockLength
    ensures forall g | g in Blocks(gains, starts, blockLength) :: g in gains
  {
    if starts != [] {
      var init := starts[..|starts| - 1];
      BlocksDrawFromGains(gains, init, blockLength);
      assert |starts| * blockLength == |init| * blockLength + blockLength;
    }
  }

  predicate ValidDraws(n: nat, blockLength: nat, draws: seq<seq<nat>>)
    requires blockLength >= 1
  {
    forall starts | starts in draws ::
      |starts| == BlockCount(n, blockLength) && forall s | s in starts :: s < n
  }

  function Mean(s: seq<real>): real
    requires s != []
  {
    Fsum(s, Value()) / (|s| as real)
  }

  /** The mean of the first n samples of one replicate. */
  function ReplicateMean(gains: seq<real>, starts: seq<nat>, blockLength: nat): real
    requires blockLength >= 1 && gains != [] && |starts| == BlockCount(|gains|, blockLength)
  {
    BlocksDrawFromGains(gains, starts, blockLength);
    BlocksSuffice(|gains|, blockLength);
    Mean(Blocks(gains, starts, blockLength)[..|gains|])
  }

  function ReplicateMeans(gains: seq<real>, draws: seq<seq<nat>>, blockLength: nat): (r: seq<real>)
    requires blockLength >= 1 && gains != [] && ValidDraws(|gains|, blockLength, draws)
    ensures |r| == |draws|
    ensures forall i | 0 <= i < |r| :: r[i] == ReplicateMean(gains, draws[i], blockLength)
  {
    seq(|draws|, i requires 0 <= i < |draws| => ReplicateMean(gains, draws[i], blockLength))
  }

  function Tails(means: seq<real>, alpha: real): Result<(real, real), PowerError>
    requires 0.0 < alpha < 1.0
  {
    if means == [] then Err(EmptySample) else
    Ok((Quantile(means, alpha), Quantile(means, 1.0 - alpha)))
  }

  /** The one-sided lower and upper quantiles of the replicate means. */
  function Bootstrap(gains: seq<real>, blockLength: nat, draws: seq<seq<nat>>, alpha: real)
    : Result<(real, real), PowerError>
    requires blockLength >= 2 && ValidDraws(|gains|, blockLength, draws) && 0.0 < alpha < 1.0
  {
    if |gains| < 2 then Err(TooFewGains) else
    Tails(Sort(AtMost, ReplicateMeans(gains, draws, blockLength)), alpha)
  }

  method CircularBlockBootstrap(gains: seq<real>, blockLength: nat, draws: seq<seq<nat>>, alpha: real)
    returns (r: Result<(real, real), PowerError>)
    requires blockLength >= 2 && ValidDraws(|gains|, blockLength, draws) && 0.0 < alpha < 1.0
    ensures r == Bootstrap(gains, blockLength, draws, alpha)
    ensures r.Ok? <==> |gains| >= 2 && draws != []
    ensures r.Ok? ==> BootstrapInterval(gains, blockLength, draws, alpha, r.value.0, r.value.1)
  {
    hide BootstrapInterval;
    BootstrapTails(gains, blockLength, draws, alpha);
    if |gains| < 2 { return Err(TooFewGains); }
    var means := DrawReplicates(gains, draws, blockLength);
    r := Tails(Sort(AtMost, means), alpha);
  }

  method DrawReplicates(gains: seq<real>, draws: seq<seq<nat>>, blockLength: nat) returns (means: seq<real>)
    requires blockLength >= 1 && gains != [] && ValidDraws(|gains|, blockLength, draws)
    ensures means == ReplicateMeans(gains, draws, blockLength)
  {
    means := [];
    for k := 0 to |draws|
      invariant |means| == k
      invariant forall i | 0 <= i < k :: means[i] == ReplicateMeans(gains, draws, blockLength)[i]
    {
      assert draws[k] in draws;
      var mean := DrawReplicate(gains, draws[k], blockLength);
      means := means + [mean];
    }
  }

  method DrawReplicate(gains: seq<real>, starts: seq<nat>, blockLength: nat) returns (mean: real)
    requires blockLength >= 1 && gains != [] && |starts| == BlockCount(|gains|, blockLength)
    ensures mean == ReplicateMean(gains, starts, blockLength)
  {
    var sample: seq<real> := [];
    for b := 0 to BlockCount(|gains|, blockLength)
      invariant sample == Blocks(gains, starts[..b], blockLength)
    {
      assert starts[..b + 1][..b] == starts[..b];
      sample := sample + Block(gains, starts[b], blockLength);
    }
    assert starts[..|starts|] == starts;
    BlocksDrawFromGains(gains, starts, blockLength);
    BlocksSuffice(|gains|, blockLength);
    mean := Mean(sample[..|gains|]);
  }

  lemma AtMostIsTotal()
    ensures TotalPreorder(AtMost)
  {
  }

  lemma MeanBetween(s: seq<real>, lo: real, hi: real)
    requires s != [] && forall x | x in s :: lo <= x <= hi
    ensures lo <= Mean(s) <= hi
  {
    SumBetween(s, Value(), lo, hi);
    DivideBounds(|s| as real, Fsum(s, Value()), lo, hi);
  }

  lemma DivideBounds(n: real, total: real, lo: real, hi: real)
    requires n > 0.0 && n * lo <= total <= n * hi
    ensures lo <= total / n <= hi
  {
    var m := total / n;
    assert m * n == total;
    if m < lo { Larger(n, m, lo); }
    if m > hi { Larger(n, hi, m); }
  }

  lemma Larger(n: real, x: real, y: real)
    requires n > 0.0 && x < y
    ensures n * x < n * y
  {
    assert n * (y - x) > 0.0;
  }

  /** x is the mean of one resampling: as many samples as there are gains, the k-th of them k % blockLength
      places after the start of block k / blockLength, wrapping at the end. */
  ghost predicate Resampled(gains: seq<real>, starts: seq<nat>, blockLength: nat, x: real)
    requires blockLength >= 1
  {
    exists sample: seq<real> ::
      Sampled(gains, starts, blockLength, sample) && x * (|gains| as real) == Fsum(sample, Value())
  }

  lemma {:induction false} BlocksAt(gains: seq<real>, starts: seq<nat>, blockLength: nat, k: nat)
    requires gains != [] && blockLength >= 1 && k < |Blocks(gains, starts, blockLength)|
    ensures k / blockLength < |starts|
    ensures Blocks(gains, starts, blockLength)[k]
         == gains[(starts[k / blockLength] + k % blockLength) % |gains|]
  {
    var n := |starts| - 1;
    var init, last := Blocks(gains, starts[..n], blockLength), Block(gains, starts[n], blockLength);
    assert Blocks(gains, starts, blockLength) == init + last;
    hide Blocks;
    if k < |init| {
      BlocksAt(gains, starts[..n], blockLength, k);
    } else {
      InLastBlock(gains, starts[..n], blockLength, k);
      assert (init + last)[k] == last[k - |init|];
    }
  }

  lemma InLastBlock(gains: seq<real>, starts: seq<nat>, blockLength: nat, k: nat)
    requires gains != [] && blockLength >= 1
    requires |Blocks(gains, starts, blockLength)| <= k < |Blocks(gains, starts, blockLength)| + blockLength
    ensures k / blockLength == |starts| && k % blockLength == k - |Blocks(gains, starts, blockLength)|
  {
    hide Blocks;
    BlocksDrawFromGains(gains, starts, blockLength);
    QuotientIs(k, |starts|, blockLength, |Blocks(gains, starts, blockLength)|);
  }

  lemma QuotientIs(k: nat, n: nat, blockLength: nat, from: nat)
    requires blockLength >= 1 && from == n * blockLength && from <= k < from + blockLength
    ensures k / blockLength == n && k % blockLength == k - from
  {
    var q := k / blockLength;
    assert q * blockLength <= k < q * blockLength + blockLength;
    if q < n { AtLeastOneBlock(n - q, blockLength); }
    if n < q { AtLeastOneBlock(q - n, blockLength); }
  }

  lemma AtLeastOneBlock(d: nat, blockLength: nat)
    requires d >= 1
    ensures d * blockLength >= blockLength
  {
  }

  lemma ReplicateIsResampled(gains: seq<real>, starts: seq<nat>, blockLength: nat)
    requires blockLength >= 1 && gains != [] && |starts| == BlockCount(|gains|, blockLength)
    ensures Resampled(gains, starts, blockLength, ReplicateMean(gains, starts, blockLength))
  {
    hide Fsum, Blocks;
    BlocksDrawFromGains(gains, starts, blockLength);
    BlocksSuffice(|gains|, blockLength);
    var sample := Blocks(gains, starts, blockLength)[..|gains|];
    SampleOfBlocks(gains, starts, blockLength, sample);
    QuotientTimes(Fsum(sample, Value()), |gains| as real);
    assert ReplicateMean(gains, starts, blockLength) * (|gains| as real) == Fsum(sample, Value());
  }

  /** The k-th sample comes from its place in its block. */
  ghost predicate Sampled(gains: seq<real>, starts: seq<nat>, blockLength: nat, sample: seq<real>)
    requires blockLength >= 1
  {
    && |sample| == |gains|
    && forall k | 0 <= k < |sample| ::
         k / blockLength < |starts|
         && sample[k] == gains[(starts[k / blockLength] + k % blockLength) % |gains|]
  }

  lemma SampleOfBlocks(gains: seq<real>, starts: seq<nat>, blockLength: nat, sample: seq<real>)
    requires blockLength >= 1 && gains != [] && |Blocks(gains, starts, blockLength)| >= |gains|
    requires sample == Blocks(gains, starts, blockLength)[..|gains|]
    ensures Sampled(gains, starts, blockLength, sample)
  {
    hide Blocks;
    forall k | 0 <= k < |sample|
      ensures k / blockLength < |starts|
      ensures sample[k] == gains[(starts[k / blockLength] + k % blockLength) % |gains|]
    {
      BlocksAt(gains, starts, blockLength, k);
    }
  }

  ghost predicate Rising(m: seq<real>) { forall i, j | 0 <= i < j < |m| :: m[i] <= m[j] }

  /** The two ends are the values at levels alpha and 1 - alpha of the means of the draws, one mean a
      draw, put in order. */
  ghost predicate BootstrapInterval(gains: seq<real>, blockLength: nat, draws: seq<seq<nat>>, alpha: real,
                                    lower: real, upper: real)
    requires blockLength >= 1
  {
    exists means: seq<real>, m: seq<real> ::
      && |means| == |draws| && (forall i | 0 <= i < |draws| :: Resampled(gains, draws[i], blockLength, means[i]))
      && Rising(m) && multiset(m) == multiset(means)
      && Interpolates(m, alpha, lower) && Interpolates(m, 1.0 - alpha, upper)
  }

  /** What the bootstrap returns, and its two errors. */
  lemma BootstrapTails(gains: seq<real>, blockLength: nat, draws: seq<seq<nat>>, alpha: real)
    requires blockLength >= 2 && ValidDraws(|gains|, blockLength, draws) && 0.0 < alpha < 1.0
    ensures var r := Bootstrap(gains, blockLength, draws, alpha);
            && (r == Err(TooFewGains) <==> |gains| < 2)
            && (r == Err(EmptySample) <==> |gains| >= 2 && draws == [])
            && (r.Ok? <==> |gains| >= 2 && draws != [])
            && (r.Ok? ==> BootstrapInterval(gains, blockLength, draws, alpha, r.value.0, r.value.1))
  {
    hide Resampled, Interpolates, Quantile, ReplicateMean, Sort, Rising;
    if |gains| >= 2 && draws != [] {
      var means := ReplicateMeans(gains, draws, blockLength);
      forall i | 0 <= i < |draws| ensures Resampled(gains, draws[i], blockLength, means[i]) {
        assert draws[i] in draws;
        ReplicateIsResampled(gains, draws[i], blockLength);
      }
      var m := Sort(AtMost, means);
      SortRises(means);
      QuantileInterpolates(m, alpha);
      QuantileInterpolates(m, 1.0 - alpha);
    }
  }

  lemma SortRises(s: seq<real>)
    ensures Rising(Sort(AtMost, s)) && multiset(Sort(AtMost, s)) == multiset(s)
  {
    var m := Sort(AtMost, s);
    AtMostIsTotal();
    SortSorts(AtMost, s);
    forall i, j | 0 <= i < j < |m| ensures m[i] <= m[j] { assert AtMost(m[i], m[j]); }
  }

  /** The bootstrap sandwich: whatever the draws, both quantiles lie within any bounds of the
      gains, and the lower one is the smaller when alpha is at most one half. */
  lemma BootstrapSandwich(gains: seq<real>, blockLength: nat, draws: seq<seq<nat>>, alpha: real, lo: real, hi: real)
    requires blockLength >= 2 && ValidDraws(|gains|, blockLength, draws) && 0.0 < alpha < 1.0
    requires forall g | g in gains :: lo <= g <= hi
    requires Bootstrap(gains, blockLength, draws, alpha).Ok?
    ensures var (lower, upper) := Bootstrap(gains, blockLength, draws, alpha).value;
            && lo <= lower <= hi && lo <= upper <= hi
            && (alpha <= 0.5 ==> lower <= upper)
  {
    var raw := ReplicateMeans(gains, draws, blockLength);
    var means := Sort(AtMost, raw);
    AtMostIsTotal();
    SortSorts(AtMost, raw);
    forall x | x in means ensures lo <= x <= hi {
      SameMembers(means, raw, x);
      var k :| 0 <= k < |raw| && raw[k] == x;
      assert draws[k] in draws;
      ReplicateBetween(gains, draws[k], blockLength, lo, hi);
    }
    TailsBetween(means, alpha, lo, hi);
  }

  lemma ReplicateBetween(gains: seq<real>, starts: seq<nat>, blockLength: nat, lo: real, hi: real)
    requires blockLength >= 1 && gains != [] && |starts| == BlockCount(|gains|, blockLength)
    requires forall g | g in gains :: lo <= g <= hi
    ensures lo <= ReplicateMean(gains, starts, blockLength) <= hi
  {
    BlocksDrawFromGains(gains, starts, blockLength);
    BlocksSuffice(|gains|, blockLength);
    var sample := Blocks(gains, starts, blockLength)[..|gains|];
    forall x | x in sample ensures lo <= x <= hi {
      assert x in Blocks(gains, starts, blockLength);
    }
    MeanBetween(sample, lo, hi);
  }

  lemma TailsBetween(means: seq<real>, alpha: real, lo: real, hi: real)
    requires means != [] && SortedBy(AtMost, means) && 0.0 < alpha < 1.0
    requires forall x | x in means :: lo <= x <= hi
    ensures var (lower, upper) := Tails(means, alpha).value;
            && lo <= lower <= hi && lo <= upper <= hi
            && (alpha <= 0.5 ==> lower <= upper)
  {
    assert means[0] in means && means[|means| - 1] in means;
    QuantileMonotone(means, alpha, alpha);
    QuantileMonotone(means, 1.0 - alpha, 1.0 - alpha);
    if alpha <= 0.5 { QuantileMonotone(means, alpha, 1.0 - alpha); }
  }
}
