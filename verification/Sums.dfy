/** Finite sums of reals (`math.fsum` without rounding) and the second-moment algebra
    that ordinary least squares rests on. */
module Sums {

  function Fsum<T>(s: seq<T>, f: T -> real): real {
    if s == [] then 0.0 else f(s[0]) + Fsum(s[1..], f)
  }

  function Sq(x: real): real { x * x }

  // Summands are named functions, so that equal arguments give equal summands.

  function Centred<T>(u: T -> real, c: real): T -> real { t => u(t) - c }

  /** (u - c)(v - d) */
  function Cross<T>(u: T -> real, c: real, v: T -> real, d: real): T -> real {
    t => (u(t) - c) * (v(t) - d)
  }

  /** (v - a - b u) squared: the squared residual of the line a + b u. */
  function ResidualSq<T>(u: T -> real, v: T -> real, a: real, b: real): T -> real {
    t => Sq(v(t) - a - b * u(t))
  }

  /** total = n k0 + m + k1 m1 + k2 m2 + k3 m3 + k4 m4, where m.. are sums over n terms. */
  ghost predicate Combines(total: real, n: real, m: real, m1: real, m2: real, m3: real, m4: real,
                           k0: real, k1: real, k2: real, k3: real, k4: real) {
    total == m + k0 * n + k1 * m1 + k2 * m2 + k3 * m3 + k4 * m4
  }

  /** Sums are linear: a combination with constant coefficients may be summed term by term. */
  lemma {:induction false} SumIsLinear<T>(s: seq<T>, f: T -> real, g: T -> real,
                                          f1: T -> real, f2: T -> real, f3: T -> real, f4: T -> real,
                                          k0: real, k1: real, k2: real, k3: real, k4: real)
    requires forall t | t in s :: Combines(f(t), 1.0, g(t), f1(t), f2(t), f3(t), f4(t), k0, k1, k2, k3, k4)
    ensures Combines(Fsum(s, f), |s| as real, Fsum(s, g), Fsum(s, f1), Fsum(s, f2), Fsum(s, f3), Fsum(s, f4),
                     k0, k1, k2, k3, k4)
  {
    if s != [] {
      SumIsLinear(s[1..], f, g, f1, f2, f3, f4, k0, k1, k2, k3, k4);
      assert s[0] in s;
      var t, r := s[0], s[1..];
      CombinationsAdd(f(t), 1.0, g(t), f1(t), f2(t), f3(t), f4(t), Fsum(r, f), |r| as real, Fsum(r, g),
                      Fsum(r, f1), Fsum(r, f2), Fsum(r, f3), Fsum(r, f4), k0, k1, k2, k3, k4);
      assert 1.0 + |r| as real == |s| as real;
    }
  }

  lemma CombinationsAdd(t: real, n: real, m: real, m1: real, m2: real, m3: real, m4: real,
                        t': real, n': real, m': real, m1': real, m2': real, m3': real, m4': real,
                        k0: real, k1: real, k2: real, k3: real, k4: real)
    requires Combines(t, n, m, m1, m2, m3, m4, k0, k1, k2, k3, k4)
    requires Combines(t', n', m', m1', m2', m3', m4', k0, k1, k2, k3, k4)
    ensures Combines(t + t', n + n', m + m', m1 + m1', m2 + m2', m3 + m3', m4 + m4', k0, k1, k2, k3, k4)
  {
  }

  /** Deviations from the mean cancel. */
  lemma {:induction false} DeviationsCancel<T>(s: seq<T>, u: T -> real, c: real)
    ensures Fsum(s, Centred(u, c)) == Fsum(s, u) - c * (|s| as real)
  {
    if s != [] {
      DeviationsCancel(s[1..], u, c);
    }
  }

  /** A sum of non-negative terms is positive exactly when some term is. */
  lemma {:induction false} NonNegativeTerms<T>(s: seq<T>, f: T -> real)
    requires forall t | t in s :: f(t) >= 0.0
    ensures Fsum(s, f) >= 0.0
    ensures Fsum(s, f) > 0.0 <==> exists t | t in s :: f(t) > 0.0
  {
    if s != [] {
      assert s == [s[0]] + s[1..];
      NonNegativeTerms(s[1..], f);
    }
  }

  /** A sum of n terms lies between n times any lower and n times any upper bound of them. */
  lemma {:induction false} SumBetween<T>(s: seq<T>, f: T -> real, lo: real, hi: real)
    requires forall t | t in s :: lo <= f(t) <= hi
    ensures (|s| as real) * lo <= Fsum(s, f) <= (|s| as real) * hi
  {
    if s != [] {
      SumBetween(s[1..], f, lo, hi);
      var n := |s[1..]| as real;
      assert (n + 1.0) * lo == n * lo + lo;
      assert (n + 1.0) * hi == n * hi + hi;
    }
  }

  lemma {:induction false} SameTerms<S, T>(s: seq<S>, f: S -> real, t: seq<T>, g: T -> real)
    requires |s| == |t|
    requires forall i | 0 <= i < |s| :: f(s[i]) == g(t[i])
    ensures Fsum(s, f) == Fsum(t, g)
  {
    if s != [] {
      forall i | 0 <= i < |s[1..]| ensures f(s[1..][i]) == g(t[1..][i]) {
        assert s[1..][i] == s[i + 1] && t[1..][i] == t[i + 1];
      }
      SameTerms(s[1..], f, t[1..], g);
    }
  }

  /** A squared-residual total split into the part no line removes, the slope error and the
      level error e. */
  ghost predicate Splits(rss: real, n: real, syy: real, sxy: real, sxx: real, slope: real, b: real, e: real) {
    rss == syy - slope * sxy + sxx * Sq(b - slope) + n * Sq(e)
  }

  lemma LeastSquaresIdentity<T>(s: seq<T>, u: T -> real, v: T -> real, mu: real, mv: real,
                                sxx: real, sxy: real, slope: real, a: real, b: real)
    requires s != []
    requires mu == Fsum(s, u) / (|s| as real) && mv == Fsum(s, v) / (|s| as real)
    requires sxx == Fsum(s, Cross(u, mu, u, mu)) && sxx != 0.0
    requires sxy == Fsum(s, Cross(u, mu, v, mv))
    requires slope == sxy / sxx
    ensures Splits(Fsum(s, ResidualSq(u, v, a, b)), |s| as real, Fsum(s, Cross(v, mv, v, mv)), sxy, sxx,
                   slope, b, mv - a - b * mu)
  {
    var e := mv - a - b * mu;
    var k0, k1, k2, k3, k4 := e * e, -2.0 * b, b * b, 2.0 * e, -2.0 * (e * b);
    ResidualSum(s, u, v, mu, mv, a, b, e, k0, k1, k2, k3, k4);
    MeanDeviationsVanish(s, u, mu);
    MeanDeviationsVanish(s, v, mv);
    CombinationSplits(Fsum(s, ResidualSq(u, v, a, b)), |s| as real, Fsum(s, Cross(v, mv, v, mv)), sxy, sxx,
                      slope, b, e, k0, k1, k2, k3, k4);
  }

  lemma CombinationSplits(rss: real, n: real, syy: real, sxy: real, sxx: real, slope: real, b: real, e: real,
                          k0: real, k1: real, k2: real, k3: real, k4: real)
    requires sxx != 0.0 && slope == sxy / sxx
    requires k0 == e * e && k1 == -2.0 * b && k2 == b * b && k3 == 2.0 * e && k4 == -2.0 * (e * b)
    requires Combines(rss, n, syy, sxy, sxx, 0.0, 0.0, k0, k1, k2, k3, k4)
    ensures Splits(rss, n, syy, sxy, sxx, slope, b, e)
  {
    CompleteSquare(sxx, sxy, slope, b);
  }

  lemma MeanDeviationsVanish<T>(s: seq<T>, u: T -> real, mu: real)
    requires s != [] && mu == Fsum(s, u) / (|s| as real)
    ensures Fsum(s, Centred(u, mu)) == 0.0
  {
    DeviationsCancel(s, u, mu);
  }

  /** Moving the centre from the mean to c adds n times the square of the move. */
  lemma SpreadAround<T>(s: seq<T>, u: T -> real, mu: real, c: real, square: real)
    requires Fsum(s, Centred(u, mu)) == 0.0 && square == Sq(mu - c)
    ensures Fsum(s, Cross(u, c, u, c)) == Fsum(s, Cross(u, mu, u, mu)) + (|s| as real) * square
  {
    hide Fsum, Cross, Centred, Sq, Combines;
    var k1 := 2.0 * (mu - c);
    SpreadCombines(s, u, mu, c, square, k1);
    CombinedTotal(Fsum(s, Cross(u, c, u, c)), |s| as real, Fsum(s, Cross(u, mu, u, mu)), Fsum(s, Centred(u, mu)),
                  square, k1);
  }

  lemma CombinedTotal(total: real, n: real, best: real, d: real, square: real, k1: real)
    requires d == 0.0 && Combines(total, n, best, d, d, d, d, square, k1, 0.0, 0.0, 0.0)
    ensures total == best + n * square
  {
    MovedTotal(total, n, best, square, k1);
  }

  lemma SpreadCombines<T>(s: seq<T>, u: T -> real, mu: real, c: real, square: real, k1: real)
    requires square == Sq(mu - c) && k1 == 2.0 * (mu - c)
    ensures var d := Fsum(s, Centred(u, mu));
            Combines(Fsum(s, Cross(u, c, u, c)), |s| as real, Fsum(s, Cross(u, mu, u, mu)), d, d, d, d,
                     square, k1, 0.0, 0.0, 0.0)
  {
    var f, g, d := Cross(u, c, u, c), Cross(u, mu, u, mu), Centred(u, mu);
    forall t | t in s ensures Combines(f(t), 1.0, g(t), d(t), d(t), d(t), d(t), square, k1, 0.0, 0.0, 0.0) {
      MovedSquare(u(t), mu, c, square, k1);
    }
    hide Combines, Sq;
    SumIsLinear(s, f, g, d, d, d, d, square, k1, 0.0, 0.0, 0.0);
  }

  lemma MovedSquare(x: real, mu: real, c: real, square: real, k1: real)
    requires square == Sq(mu - c) && k1 == 2.0 * (mu - c)
    ensures var d := x - mu;
            Combines((x - c) * (x - c), 1.0, d * d, d, d, d, d, square, k1, 0.0, 0.0, 0.0)
  {
    var d, e := x - mu, mu - c;
    assert x - c == d + e;
    assert (d + e) * (d + e) == d * d + 2.0 * e * d + e * e;
  }

  lemma MovedTotal(total: real, n: real, best: real, square: real, k1: real)
    requires Combines(total, n, best, 0.0, 0.0, 0.0, 0.0, square, k1, 0.0, 0.0, 0.0)
    ensures total == best + n * square
  {
  }

  lemma ResidualSum<T>(s: seq<T>, u: T -> real, v: T -> real, mu: real, mv: real, a: real, b: real, e: real,
                       k0: real, k1: real, k2: real, k3: real, k4: real)
    requires e == mv - a - b * mu
    requires k0 == e * e && k1 == -2.0 * b && k2 == b * b && k3 == 2.0 * e && k4 == -2.0 * (e * b)
    ensures Combines(Fsum(s, ResidualSq(u, v, a, b)), |s| as real, Fsum(s, Cross(v, mv, v, mv)),
                     Fsum(s, Cross(u, mu, v, mv)), Fsum(s, Cross(u, mu, u, mu)),
                     Fsum(s, Centred(v, mv)), Fsum(s, Centred(u, mu)), k0, k1, k2, k3, k4)
  {
    var f, vv, uv, uu := ResidualSq(u, v, a, b), Cross(v, mv, v, mv), Cross(u, mu, v, mv), Cross(u, mu, u, mu);
    forall t | t in s
      ensures Combines(f(t), 1.0, vv(t), uv(t), uu(t), Centred(v, mv)(t), Centred(u, mu)(t), k0, k1, k2, k3, k4)
    {
      ResidualTerm(u(t), v(t), mu, mv, a, b, e, k0, k1, k2, k3, k4);
    }
    SumIsLinear(s, f, vv, uv, uu, Centred(v, mv), Centred(u, mu), k0, k1, k2, k3, k4);
  }

  lemma ResidualTerm(x: real, y: real, mu: real, mv: real, a: real, b: real, e: real,
                     k0: real, k1: real, k2: real, k3: real, k4: real)
    requires e == mv - a - b * mu
    requires k0 == e * e && k1 == -2.0 * b && k2 == b * b && k3 == 2.0 * e && k4 == -2.0 * (e * b)
    ensures Combines(Sq(y - a - b * x), 1.0, (y - mv) * (y - mv), (x - mu) * (y - mv), (x - mu) * (x - mu),
                     y - mv, x - mu, k0, k1, k2, k3, k4)
  {
    var p, q := x - mu, y - mv;
    assert b * x == b * p + b * mu;
    assert y - a - b * x == q - b * p + e;
    TrinomialSquare(q, b * p, e);
    assert (b * p) * (b * p) == (b * b) * (p * p);
    assert q * (b * p) == b * (p * q);
    assert e * (b * p) == (e * b) * p;
  }

  lemma TrinomialSquare(q: real, z: real, e: real)
    ensures Sq(q - z + e) == q * q + z * z + e * e - 2.0 * (q * z) + 2.0 * (e * q) - 2.0 * (e * z)
  {
  }

  lemma CompleteSquare(sxx: real, sxy: real, slope: real, b: real)
    requires slope * sxx == sxy
    ensures (b * b) * sxx + (-2.0 * b) * sxy == sxx * Sq(b - slope) - slope * sxy
  {
    assert Sq(b - slope) == b * b - 2.0 * (b * slope) + slope * slope;
    assert sxx * (b * b - 2.0 * (b * slope) + slope * slope)
        == (b * b) * sxx - 2.0 * (b * (slope * sxx)) + slope * (slope * sxx);
  }
}
