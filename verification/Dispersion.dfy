/** Mean, standard deviation and the two inequalities about them that the outlier filters rely on.
    A standard deviation of xs about mean m is a non-negative s with n*s*s equal to the sum of squared
    deviations, so no square root is needed to talk about it. */
module Dispersion {
  import opened RealArithmetic

  function Sum(xs: seq<real>): real {
    if xs == [] then 0.0 else Sum(xs[..|xs| - 1]) + xs[|xs| - 1]
  }

  function Mean(xs: seq<real>): real
    requires xs != []
  {
    Sum(xs) / |xs| as real
  }

  function SumOfSquares(xs: seq<real>): real {
    if xs == [] then 0.0 else SumOfSquares(xs[..|xs| - 1]) + xs[|xs| - 1] * xs[|xs| - 1]
  }

  /** The sum of (x - c)^2. */
  function SquaredDeviations(xs: seq<real>, c: real): real {
    if xs == [] then 0.0
    else SquaredDeviations(xs[..|xs| - 1], c) + (xs[|xs| - 1] - c) * (xs[|xs| - 1] - c)
  }

  /** How many elements lie strictly below the bound. */
  function CountBelow(xs: seq<real>, bound: real): nat {
    if xs == [] then 0
    else CountBelow(xs[..|xs| - 1], bound) + if xs[|xs| - 1] < bound then 1 else 0
  }

  ghost predicate IsMean(xs: seq<real>, m: real) {
    Times(|xs| as real, m) == Sum(xs)
  }

  ghost predicate IsStd(xs: seq<real>, m: real, s: real) {
    s >= 0.0 && SpreadOf(|xs| as real, s) == SquaredDeviations(xs, m)
  }

  /** What a square-root routine promises. */
  ghost predicate IsRoot(root: real -> real) {
    forall x: real :: x >= 0.0 ==> root(x) >= 0.0 && root(x) * root(x) == x
  }

  /** n*s*s: the sum of n squared deviations of size s. */
  function SpreadOf(n: real, s: real): real {
    n * (s * s)
  }

  /** The sum of (x - c)^2 over n numbers x with sum s and sum of squares q. */
  function Expanded(q: real, s: real, n: real, c: real): real {
    q - 2.0 * c * s + n * (c * c)
  }

  lemma {:induction false} ExpandDeviations(xs: seq<real>, c: real)
    ensures SquaredDeviations(xs, c) == Expanded(SumOfSquares(xs), Sum(xs), |xs| as real, c)
  {
    if xs != [] {
      var x, rest := xs[|xs| - 1], xs[..|xs| - 1];
      ExpandDeviations(rest, c);
      ExpandStep(SumOfSquares(rest), Sum(rest), |rest| as real, c, x);
    }
  }

  lemma ExpandStep(q: real, s: real, n: real, c: real, x: real)
    ensures Expanded(q, s, n, c) + (x - c) * (x - c) == Expanded(q + x * x, s + x, n + 1.0, c)
  {
  }

  /** Moving the centre away from the mean by u adds n*u*u. */
  lemma ShiftedDeviations(xs: seq<real>, m: real, u: real, c: real)
    requires IsMean(xs, m) && c == m + u
    ensures SquaredDeviations(xs, c) == SquaredDeviations(xs, m) + SpreadOf(|xs| as real, u)
  {
    ExpandDeviations(xs, m);
    ExpandDeviations(xs, c);
    ShiftStep(SumOfSquares(xs), Sum(xs), |xs| as real, m, u, c);
  }

  lemma ShiftStep(q: real, s: real, n: real, m: real, u: real, c: real)
    requires Times(n, m) == s && c == m + u
    ensures Expanded(q, s, n, c) == Expanded(q, s, n, m) + SpreadOf(n, u)
  {
    assert n * (c * c) == n * (m * m) + 2.0 * u * (n * m) + n * (u * u);
  }

  lemma {:induction false} DeviationsNonNegative(xs: seq<real>, c: real)
    ensures SquaredDeviations(xs, c) >= 0.0
  {
    if xs != [] {
      DeviationsNonNegative(xs[..|xs| - 1], c);
      SquareNonNegative(xs[|xs| - 1] - c);
    }
  }

  /** One element accounts for at most the whole sum. */
  lemma {:induction false} SingleDeviation(xs: seq<real>, c: real, j: nat, e: real)
    requires j < |xs| && e == xs[j] - c
    ensures Times(e, e) <= SquaredDeviations(xs, c)
  {
    if j < |xs| - 1 {
      SingleDeviation(xs[..|xs| - 1], c, j, e);
      SquareNonNegative(xs[|xs| - 1] - c);
    } else {
      DeviationsNonNegative(xs[..|xs| - 1], c);
    }
  }

  /** Markov's inequality for squared deviations: each element below c - d contributes more than d*d. */
  lemma {:induction false} MarkovBelow(xs: seq<real>, c: real, d: real, b: real)
    requires d >= 0.0 && b == c - d
    ensures SpreadOf(CountBelow(xs, b) as real, d) <= SquaredDeviations(xs, c)
    ensures CountBelow(xs, b) > 0 ==> SpreadOf(CountBelow(xs, b) as real, d) < SquaredDeviations(xs, c)
  {
    if xs != [] {
      var e, rest := c - xs[|xs| - 1], xs[..|xs| - 1];
      MarkovBelow(rest, c, d, b);
      SquareNonNegative(e);
      assert (xs[|xs| - 1] - c) * (xs[|xs| - 1] - c) == e * e;
      if xs[|xs| - 1] < b {
        SquareMonotone(d, e);
        OneMore(CountBelow(rest, b) as real, d);
      }
    }
  }

  lemma OneMore(k: real, d: real)
    ensures SpreadOf(k + 1.0, d) == SpreadOf(k, d) + d * d
  {
  }

  /** One-sided Chebyshev inequality at two standard deviations: strictly fewer than a fifth of the
      elements lie below b = mean - 2w, for any positive w that is at least the standard deviation. */
  lemma FewerThanAFifthBelow(xs: seq<real>, m: real, s: real, w: real, b: real)
    requires xs != [] && IsMean(xs, m) && IsStd(xs, m, s)
    requires s <= w && 0.0 < w && b == m - 2.0 * w
    ensures 5 * CountBelow(xs, b) < |xs|
  {
    var k, u := CountBelow(xs, b), w / 2.0;
    var c, d := m + u, 5.0 * u;
    ShiftedDeviations(xs, m, u, c);
    MarkovBelow(xs, c, d, b);
    if k > 0 {
      FifthArithmetic(k as real, |xs| as real, SquaredDeviations(xs, m), SquaredDeviations(xs, c), s, w, u, d);
    }
  }

  lemma FifthArithmetic(k: real, n: real, dev: real, shifted: real, s: real, w: real, u: real, d: real)
    requires n > 0.0 && u > 0.0 && w == 2.0 * u && d == 5.0 * u && 0.0 <= s <= w
    requires SpreadOf(n, s) == dev && shifted == dev + SpreadOf(n, u)
    requires SpreadOf(k, d) < shifted
    ensures 5.0 * k < n
  {
    var q := u * u;
    ProductSign(u, u);
    SquareMonotone(s, w);
    assert d * d == 25.0 * q && w * w == 4.0 * q;
    Scale(n, s * s, 4.0 * q);
    assert k * (25.0 * q) == (5.0 * q) * (5.0 * k) && n * (4.0 * q) + n * q == (5.0 * q) * n;
    CancelScale(5.0 * q, 5.0 * k, n);
  }

  /** Samuelson's inequality: no element is further than sqrt(n-1) standard deviations from the mean. */
  lemma Samuelson(xs: seq<real>, m: real, s: real, j: nat, d: real)
    requires IsMean(xs, m) && IsStd(xs, m, s) && j < |xs| && d == m - xs[j]
    ensures Times(d, d) <= SpreadOf((|xs| - 1) as real, s)
  {
    if |xs| == 1 {
      assert Sum(xs) == Sum(xs[..0]) + xs[0] == xs[0];
      assert d == 0.0;
    } else {
      var u := Divide(d, (|xs| - 1) as real);
      var c := m + u;
      ShiftedDeviations(xs, m, u, c);
      SingleDeviation(xs, c, j, xs[j] - c);
      SamuelsonArithmetic(|xs| as real, (|xs| - 1) as real, SquaredDeviations(xs, m), SquaredDeviations(xs, c),
                          u, d, xs[j] - c, s);
    }
  }

  lemma SamuelsonArithmetic(n: real, n1: real, dev: real, shifted: real, u: real, d: real, e: real, s: real)
    requires n1 > 0.0 && n == n1 + 1.0 && d == Times(n1, u) && e == -(d + u)
    requires SpreadOf(n, s) == dev && shifted == dev + SpreadOf(n, u) && Times(e, e) <= shifted
    ensures Times(d, d) <= SpreadOf(n1, s)
  {
    var q := u * u;
    assert e == -(n * u);
    assert e * e == n * (n * q);
    assert n * (n1 * q) == n * (n * q) - n * q;
    CancelScale(n, n1 * q, s * s);
    assert d * d == n1 * (n1 * q);
    Scale(n1, n1 * q, s * s);
  }
}
